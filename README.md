# Library schema: a verified model

This project models the core of a small Django library site:

- the relational schema of its four apps, with the tables, keys, unique indexes, choice domains, defaults and `on_delete` edges:
  - `library`: authors, profiles, categories, publishers, books, publications;
  - `management`: branches, copies, loans, reservations;
  - `users`: users, reading lists, reviews;
  - `analytics`: book views, category and author analytics, recommendation logs;
- the one hand-written save rule, `Category.save`, which fills an empty slug from the name;
- the `populate_db` management command, which clears the catalog and saves a fixed sample catalog;
- the query part of the seven read-only views.

## Layout

- `basics.dfy` has the shared value types: `Option`, `Result`, the `Error` kinds, keys and dates. `catalog.dfy`, `circulation.dfy`, `accounts.dfy` and `analytics.dfy` have one row datatype per model, with the declared defaults as default arguments and the choice fields as enumerations.
- `database.dfy` holds `Db`, every table of the schema as one value. Link sets hold the many-to-many relations. `Integrity` is the conjunction of every constraint the schema declares:
  - every foreign key resolves, except a null `BookView.user`;
  - every unique index and one-to-one field holds;
  - ratings are a declared choice;
  - every key is below the next key to be handed out.
- `writes.dfy` holds every insert, link and analytics update as a function on `Db`. `writes_sound.dfy` proves that each one keeps `Integrity`. `writes_facts.dfy` proves what each promises: refusals, defaults, and that deleting a fresh row undoes its insert.
- `cascade.dfy` holds every delete, following the declared `on_delete` edges. It proves that each delete keeps `Integrity`. `cascade_facts.dfy` proves exactly what each delete removes, rewrites and leaves alone.
- `store.dfy` holds the `LibraryStore` class, which keeps the tables as fields and updates them in place. Each method is specified by the `Db` function it performs, and its invariant `Valid()` is `Integrity`. The copy delete and the `SET_NULL` rewrite of view rows are loops.
- `populate.dfy` models the seed command: six deletes in the written order, then `save()` loops over the sample rows, the five `categories.add` calls and the publications.
- `ordering.dfy` and `views.dfy` model the views as functions over `Db`:
  - `order_by` is an insertion sort under a total preorder;
  - `[:5]` is a prefix;
  - `annotate(Count('books'))` is the size of the category's link set;
  - `get_object_or_404` is a `Result`.

Keys come from one shared counter `nextId` and are never reused, so a fresh key is named by no row; the delete-undoes-insert lemmas rest on that. Django's `slugify` is a function parameter with no properties assumed. The seed succeeds exactly when it gives the six sample names six distinct slugs; it does whenever `slugify` is injective (`Populate.InjectiveSlugifySeeds`).

Two points of the code worth stating plainly:

- `populate_db.py` saves six sample categories (library/management/commands/populate_db.py:21-31).
- `Category.save` fills an empty slug on every save, not only when a category is created. An edit that clears the slug regenerates it from the current name (`Writes.UpdateCategory`). An edit that keeps a non-empty slug never regenerates it (`WritesFacts.RenameKeepsSlug`). A save whose primary key no row holds is Django's UPDATE-then-INSERT: the row is inserted under that key (`WritesFacts.SaveUnderAbsentKeyInserts`). The analytics saves follow the same rule (`WritesFacts.StatsUpdateChecks`, `WritesFacts.AuthorStatsUpdateChecks`).

## Model

| member | source | states |
|---|---|---|
| Catalog.SlugFilledOnlyWhenEmpty | library/models.py:37-40 | saving stores `slugify(name)` as the slug exactly when the slug was empty, and changes no other field |
| Catalog.SlugSurvivesRename | library/models.py:37-40 | once a slug is set, a later name edit never regenerates it |
| Catalog.SlugRuleIdempotent | library/models.py:37-40 | saving a category twice stores the same row as saving it once |
| WritesFacts.NewCategorySlug | library/models.py:32-40 | an accepted new category is stored under the returned key with its name, and its slug is the given one or, when none was given, the slugified name |
| WritesFacts.DuplicateSlugRefused | library/models.py:32 | a category whose slug, after the save rule, is already stored is refused with ConstraintViolation and the database is unchanged |
| WritesFacts.RenameKeepsSlug | library/models.py:32-40 | renaming a category that has a slug is accepted and changes only its name |
| WritesFacts.SaveUnderAbsentKeyInserts | library/models.py:37-40 | saving a category under a primary key no category holds inserts it under that key, with the slug rule applied, and the key counter moves past it |
| WritesFacts.DuplicateIsbnRefused | library/models.py:62 | a book with a stored ISBN is refused with ConstraintViolation and nothing changes |
| WritesFacts.ProfilePerAuthor | library/models.py:15-20 | saving a profile for a live author leaves exactly one profile under that author's key (insert or overwrite) |
| WritesFacts.DuplicateTripleRefused | library/models.py:90 | a publication repeating a stored (book, publisher, country) is refused with ConstraintViolation |
| WritesFacts.OtherCountryAccepted | library/models.py:90 | the same book and publisher in a country not yet recorded for that pair is accepted |
| WritesFacts.DuplicateInventoryNumberRefused | management/models.py:30 | a copy with a stored inventory number is refused with ConstraintViolation |
| WritesFacts.NewCopyDefaults | management/models.py:21-31 | a copy saved without condition or availability is stored as `good` and available |
| WritesFacts.NewLoanDefaults | management/models.py:43-51 | a loan saved without status is stored `active`, with no return date |
| WritesFacts.NewReservationDefaults | management/models.py:61-67 | a reservation saved without status is stored `pending`, stamped with the current time |
| WritesFacts.RatingOutOfRangeRefused | users/models.py:27 | a review whose rating is outside 1..5 is refused with ValidationError |
| WritesFacts.SecondReviewRefused | users/models.py:31-32 | a second review of a book by the same user is refused with ConstraintViolation |
| WritesFacts.NewReadingListPrivate | users/models.py:17-18 | a reading list saved without `is_public` is stored private |
| WritesFacts.NewCategoryStatsZero | analytics/models.py:16-18 | a second analytics row for a category is refused with ConstraintViolation and only then; a new row starts with both counters at 0 |
| WritesFacts.NewAuthorStatsZero | analytics/models.py:27-30 | the same for author analytics: one row per author, counters start at 0 |
| WritesFacts.StatsUpdateChecks | analytics/models.py:14-20 | saving category analytics under a key is accepted exactly when the category exists (NotFound otherwise), no counter is negative and no other row holds the category (ConstraintViolation otherwise, with nothing changed); an accepted save stores the given category, counters and score under the key, whether it updates a row or inserts one, refreshes `last_updated`, leaves every other row and table alone, and moves the key counter past the key |
| WritesFacts.AuthorStatsUpdateChecks | analytics/models.py:25-31 | the same rule for author analytics: accepted exactly when the author exists, neither counter is negative and no other row holds the author; a refusal changes nothing; an accepted save stores the author, counters and rating under the key, refreshes `last_updated` and leaves every other row alone |
| WritesFacts.StatsOneToOne | analytics/models.py:16 | with the one-to-one constraint in force, re-saving a row with its own category and non-negative counters is accepted, and saving it with the category of another row is refused with ConstraintViolation |
| WritesFacts.NewRecommendationUnclicked | analytics/models.py:41-42 | a recommendation saved without `clicked` is stored unclicked, stamped with the current time |
| WritesFacts.DropUndoesAddBook | library/models.py:54-90 | deleting a just-inserted book gives back the database as before the insert, with only the key counter advanced |
| WritesFacts.DropUndoesAddAuthor | library/models.py:4-20 | deleting a just-inserted author gives back the database as before, with only the counter advanced |
| WritesFacts.DropUndoesAddCategory | library/models.py:28-40 | the same for a category |
| WritesFacts.DropUndoesAddPublisher | library/models.py:45-52 | the same for a publisher |
| WritesFacts.DropUndoesAddPublication | library/models.py:81-90 | the same for a publication |
| WritesFacts.DropUndoesAddBranch | management/models.py:5-14 | the same for a branch |
| WritesFacts.DropUndoesAddCopy | management/models.py:16-35 | the same for a copy |
| WritesFacts.DropUndoesAddUser | users/models.py:5-9 | the same for a user |
| WritesSound.AddAuthorSound | library/models.py:4-11 | inserting an author keeps every schema constraint |
| WritesSound.SaveProfileSound | library/models.py:13-20 | saving a profile, an insert or an overwrite under its author's key, keeps every constraint |
| WritesSound.AddCategorySound | library/models.py:28-40 | inserting a category keeps every constraint, the unique slug included |
| WritesSound.UpdateCategorySound | library/models.py:28-40 | editing a category keeps every constraint, the unique slug included |
| WritesSound.AddPublisherSound | library/models.py:45-52 | inserting a publisher keeps every constraint |
| WritesSound.AddBookSound | library/models.py:54-69 | inserting a book keeps every constraint: its author exists and its ISBN is unique |
| WritesSound.LinkCategorySound | library/models.py:66-69 | linking a live book to a live category keeps every constraint |
| WritesSound.AddPublicationSound | library/models.py:81-90 | inserting a publication keeps every constraint: its book and publisher exist and its triple is unique |
| WritesSound.AddBranchSound | management/models.py:5-14 | inserting a branch keeps every constraint |
| WritesSound.AddCopySound | management/models.py:16-35 | inserting a copy keeps every constraint: its book and branch exist and its inventory number is unique |
| WritesSound.AddLoanSound | management/models.py:37-54 | inserting a loan keeps every constraint: its copy and borrower exist |
| WritesSound.AddReservationSound | management/models.py:56-70 | inserting a reservation keeps every constraint: its book, user and branch exist |
| WritesSound.AddUserSound | users/models.py:5-9 | inserting a user keeps every constraint |
| WritesSound.LinkFavoriteSound | users/models.py:8 | adding a favourite category keeps every constraint |
| WritesSound.AddReadingListSound | users/models.py:11-18 | inserting a reading list keeps every constraint |
| WritesSound.LinkListBookSound | users/models.py:16 | adding a book to a reading list keeps every constraint |
| WritesSound.AddReviewSound | users/models.py:23-32 | inserting a review keeps every constraint: rating in 1..5 and one review per (user, book) |
| WritesSound.AddViewSound | analytics/models.py:5-9 | recording a view, with or without a user, keeps every constraint |
| WritesSound.AddCategoryStatsSound | analytics/models.py:14-20 | inserting category analytics keeps every constraint, the one-to-one field included |
| WritesSound.UpdateCategoryStatsSound | analytics/models.py:14-20 | saving category analytics under a key, as an update or an insert, keeps every constraint, the one-to-one field and fresh keys included |
| WritesSound.AddAuthorStatsSound | analytics/models.py:25-31 | inserting author analytics keeps every constraint, the one-to-one field included |
| WritesSound.UpdateAuthorStatsSound | analytics/models.py:25-31 | saving author analytics under a key, as an update or an insert, keeps every constraint, the one-to-one field and fresh keys included |
| WritesSound.AddRecommendationSound | analytics/models.py:36-42 | inserting a recommendation keeps every constraint |
| Cascade.DropCopiesSound | management/models.py:39 | deleting copies, with their loans, keeps every constraint |
| Cascade.DropBooksSound | library/models.py:57-84 | deleting books, with everything that points at them, keeps every constraint |
| Cascade.DropAuthorsSound | library/models.py:15-17 | deleting authors, with their profiles, books and analytics, keeps every constraint |
| Cascade.DropProfilesSound | library/models.py:13-20 | deleting profiles keeps every constraint |
| Cascade.DropPublicationsSound | library/models.py:81-90 | deleting publications keeps every constraint |
| Cascade.DropPublishersSound | library/models.py:85 | deleting publishers, with their publications, keeps every constraint |
| Cascade.DropCategoriesSound | users/models.py:8 | deleting categories, unlinking them from books and fans, keeps every constraint |
| Cascade.DropBranchesSound | management/models.py:19 | deleting branches, with their copies, loans and reservations, keeps every constraint |
| Cascade.DropUsersSound | analytics/models.py:8 | deleting users keeps every constraint; their views stay with the user cleared |
| CascadeFacts.DropCopiesCompose | management/models.py:39 | deleting copies one at a time is deleting them all at once |
| CascadeFacts.DropAuthorsEffect | library/models.py:57-61 | deleting authors removes exactly their profiles, their books, everything that goes with those books (copies and their loans, publications, reservations, reviews, views, recommendations, category and reading-list links) and their analytics rows; every row that stays in those tables keeps its values; no other table changes |
| CascadeFacts.DropBooksEffect | library/models.py:54-90 | deleting books removes exactly the copies of them and those copies' loans, and their publications, reservations, reviews, views and recommendations; the books leave every category and every reading list; every row that stays keeps its values; no other table changes (the CASCADE edges to a book are also at management/models.py:18,39,58, users/models.py:16,26 and analytics/models.py:7,39) |
| CascadeFacts.DropBooksKeepsSurvivors | library/models.py:54-90 | the copies, loans, publications, reservations, reviews, views and recommendations a book delete leaves keep their values |
| CascadeFacts.DropPublishersEffect | library/models.py:84-85 | deleting publishers removes exactly the publications naming them, and the other publications keep their values; no other table changes |
| CascadeFacts.DropCategoriesEffect | users/models.py:8 | deleting categories removes them from every book and every user's favourites and removes their analytics rows, the other analytics rows keeping their values; no other table changes |
| CascadeFacts.DropCopiesEffect | management/models.py:39 | deleting copies removes exactly their loans, the other loans keeping their values, and nothing else |
| CascadeFacts.DropBranchesEffect | management/models.py:19-60 | deleting branches removes exactly the copies held there, those copies' loans and the branches' reservations; the copies, loans and reservations that stay keep their values; no other table changes |
| CascadeFacts.DropUsersEffect | analytics/models.py:8 | deleting users removes exactly their loans, reservations, reading lists (with those lists' book links), reviews, recommendations and favourites; the loans, reservations, lists, reviews and recommendations that stay keep their values; every view row stays, with the user cleared exactly on theirs; no other table changes |
| CascadeFacts.DropUsersKeepsSurvivors | users/models.py:13-25 | the loans, reservations, reading lists, reviews and recommendations a user delete leaves keep their values |
| Store.LibraryStore.constructor | library/models.py:1-93 | a new store is empty and sound |
| Store.LibraryStore.InsertAuthor | library/models.py:4-11 | the store becomes `AddAuthor` of its old tables and stays sound |
| Store.LibraryStore.SaveProfile | library/models.py:13-20 | the store becomes `SaveProfile` of its old tables and stays sound |
| Store.LibraryStore.InsertCategory | library/models.py:37-40 | the store becomes `AddCategory` of its old tables, with the slug rule applied, and stays sound |
| Store.LibraryStore.SaveCategory | library/models.py:37-40 | the store becomes `UpdateCategory` of its old tables (an overwrite, or an insert under the given key when no row has it) and stays sound |
| Store.LibraryStore.InsertPublisher | library/models.py:45-52 | the store becomes `AddPublisher` of its old tables and stays sound |
| Store.LibraryStore.InsertBook | library/models.py:54-69 | the store becomes `AddBook` of its old tables and stays sound |
| Store.LibraryStore.AddBookCategory | library/models.py:66-69 | the store becomes `LinkCategory` of its old tables and stays sound |
| Store.LibraryStore.InsertPublication | library/models.py:81-90 | the store becomes `AddPublication` of its old tables and stays sound |
| Store.LibraryStore.InsertBranch | management/models.py:5-14 | the store becomes `AddBranch` of its old tables and stays sound |
| Store.LibraryStore.InsertCopy | management/models.py:16-35 | the store becomes `AddCopy` of its old tables and stays sound |
| Store.LibraryStore.InsertLoan | management/models.py:37-54 | the store becomes `AddLoan` of its old tables and stays sound |
| Store.LibraryStore.InsertReservation | management/models.py:56-70 | the store becomes `AddReservation` of its old tables and stays sound |
| Store.LibraryStore.InsertUser | users/models.py:5-9 | the store becomes `AddUser` of its old tables and stays sound |
| Store.LibraryStore.AddFavorite | users/models.py:8 | the store becomes `LinkFavorite` of its old tables and stays sound |
| Store.LibraryStore.InsertReadingList | users/models.py:11-18 | the store becomes `AddReadingList` of its old tables and stays sound |
| Store.LibraryStore.AddToReadingList | users/models.py:16 | the store becomes `LinkListBook` of its old tables and stays sound |
| Store.LibraryStore.InsertReview | users/models.py:23-32 | the store becomes `AddReview` of its old tables and stays sound |
| Store.LibraryStore.RecordView | analytics/models.py:5-9 | the store becomes `AddView` of its old tables and stays sound |
| Store.LibraryStore.InsertCategoryStats | analytics/models.py:14-20 | the store becomes `AddCategoryStats` of its old tables and stays sound |
| Store.LibraryStore.SaveCategoryStats | analytics/models.py:14-20 | `save()` under a set key, updating the row or inserting it when no row has the key: the store becomes `UpdateCategoryStats` of its old tables and stays sound |
| Store.LibraryStore.InsertAuthorStats | analytics/models.py:25-31 | the store becomes `AddAuthorStats` of its old tables and stays sound |
| Store.LibraryStore.SaveAuthorStats | analytics/models.py:25-31 | `save()` under a set key, updating the row or inserting it when no row has the key: the store becomes `UpdateAuthorStats` of its old tables and stays sound |
| Store.LibraryStore.InsertRecommendation | analytics/models.py:36-42 | the store becomes `AddRecommendation` of its old tables and stays sound |
| Store.LibraryStore.CopiesRemoved | management/models.py:39 | deleting the copies one by one, each with its loans, leaves exactly the loans not on a doomed copy and the copies not doomed |
| Store.LibraryStore.DeleteCopies | management/models.py:39 | the store becomes `DropCopies` of its old tables and stays sound |
| Store.LibraryStore.DeleteBooks | library/models.py:84 | the store becomes `DropBooks` of its old tables and stays sound |
| Store.LibraryStore.DeleteAuthors | library/models.py:15-17 | the store becomes `DropAuthors` of its old tables and stays sound |
| Store.LibraryStore.DeleteProfiles | library/models.py:13-20 | the store becomes `DropProfiles` of its old tables and stays sound |
| Store.LibraryStore.DeletePublications | library/models.py:81-90 | the store becomes `DropPublications` of its old tables and stays sound |
| Store.LibraryStore.DeletePublishers | library/models.py:85 | the store becomes `DropPublishers` of its old tables and stays sound |
| Store.LibraryStore.DeleteCategories | users/models.py:8 | the store becomes `DropCategories` of its old tables and stays sound |
| Store.LibraryStore.DeleteBranches | management/models.py:19 | the store becomes `DropBranches` of its old tables and stays sound |
| Store.LibraryStore.ViewsAnonymized | analytics/models.py:8 | rewriting the view rows one by one clears the user exactly on the views of a doomed user and keeps every row |
| Store.LibraryStore.DeleteUsers | analytics/models.py:8 | the store becomes `DropUsers` of its old tables and stays sound |
| Populate.ClearBooks | library/management/commands/populate_db.py:13 | deleting every book also empties the copies, loans, publications, reservations, reviews, views, recommendations and both link tables that name books |
| Populate.ClearCategories | library/management/commands/populate_db.py:14 | deleting every category also empties the book links, the favourites and the category analytics |
| Populate.ClearAuthors | library/management/commands/populate_db.py:16 | once no book is left, deleting every author takes only the profiles and author analytics |
| Populate.ClearPublishers | library/management/commands/populate_db.py:17 | once no publication is left, deleting every publisher takes nothing else |
| Populate.Clear | library/management/commands/populate_db.py:12-17 | the six deletes in their written order empty the six catalog tables and everything that cascades from them; users, reading lists and branches stay |
| Populate.SeededSize | library/management/commands/populate_db.py:30-31 | a table filled by saving n rows one by one into an empty table holds exactly n rows |
| Populate.SaveCategories | library/management/commands/populate_db.py:30-31 | saving the categories in order succeeds exactly when their filled slugs are pairwise distinct, and stores each row under its key; a clash fails with ConstraintViolation |
| Populate.SaveAuthors | library/management/commands/populate_db.py:44-45 | saving the authors stores exactly those rows, one per key handed out |
| Populate.SaveProfiles | library/management/commands/populate_db.py:55-56 | saving the profiles stores the i-th profile under the i-th saved author |
| Populate.SavePublishers | library/management/commands/populate_db.py:66-67 | saving the publishers stores exactly those rows |
| Populate.SaveBooks | library/management/commands/populate_db.py:89-90 | books with distinct ISBNs and saved authors are all accepted and stored |
| Populate.SavePublications | library/management/commands/populate_db.py:110-111 | publications with distinct triples and saved books and publishers are all accepted and stored |
| Populate.InjectiveSlugifySeeds | library/management/commands/populate_db.py:21-31 | the six sample names are different, so a slugify that keeps different names apart gives six different slugs |
| Populate.SeedSlugsFromNames | library/management/commands/populate_db.py:21-31 | no sample category is given a slug, so every stored slug is the slugified name |
| Populate.SeedIsbnsDistinct | library/management/commands/populate_db.py:71-87 | the four sample ISBNs are pairwise distinct |
| Populate.SeedBookAuthorsSaved | library/management/commands/populate_db.py:71-87 | every sample book points at a saved author |
| Populate.SeedTriplesDistinct | library/management/commands/populate_db.py:102-108 | the five sample publication triples are pairwise distinct |
| Populate.SeedPublicationRefsSaved | library/management/commands/populate_db.py:102-108 | every sample publication points at a saved book and a saved publisher |
| Populate.SeedLinks | library/management/commands/populate_db.py:94-98 | the five `categories.add` calls leave exactly the five sample links |
| Populate.LinkRowsShape | library/management/commands/populate_db.py:94-98 | the five links are five different pairs, and book 1 ("1984") is in exactly categories 0 and 4 |
| Populate.SeedPeople | library/management/commands/populate_db.py:21-67 | on an empty catalog, the categories, authors, profiles and publishers are saved exactly when the six slugs are distinct; otherwise the result is ConstraintViolation |
| Populate.SeedWorks | library/management/commands/populate_db.py:69-111 | after the people, the books, links and publications are all accepted, and the catalog holds exactly the sample data |
| Populate.Handle | library/management/commands/populate_db.py:9-111 | the command succeeds exactly when the six slugs are distinct, and an error is ConstraintViolation; on success the catalog holds exactly the sample data; the other tables are as the clearing left them |
| Populate.SeededCatalogSizes | library/management/commands/populate_db.py:21-111 | after a successful run there are 6 categories, 3 authors, 3 profiles, 3 publishers, 4 books, 5 publications and 5 links, with "1984" in two categories |
| Populate.ClearedOutsideTwice | library/management/commands/populate_db.py:12-17 | clearing a second time leaves the other tables as clearing once does |
| Populate.HandleTwice | library/management/commands/populate_db.py:9-111 | a second run reaches the same outcome as the first; after it the catalog again holds exactly the sample data and the other tables are as after one clearing |
| Ordering.SortSorted | library/views.py:23 | `order_by` returns its rows sorted under any total preorder |
| Ordering.SortKeeps | library/views.py:23 | `order_by` returns exactly the rows it was given, as many of each |
| Ordering.TakeDominates | library/views.py:15 | in a sorted result, every row kept by `[:n]` precedes every row left out |
| Ordering.LexLeTotal | library/views.py:23 | text order compares every pair of strings |
| Ordering.LexLeTransitive | library/views.py:23 | text order is transitive |
| Ordering.LexLeAntisymmetric | library/views.py:23 | two names each at most the other are equal |
| Views.Home | library/views.py:8-17 | the home totals are the sizes of the book, author, category and publisher tables, and each list has at most 5 rows |
| Views.HomeTopCategories | library/views.py:13-15 | the home categories are min(5, number of categories) distinct categories with their book counts, in non-increasing count, and no category left out has more books than one shown |
| Views.HomeRecentBooks | library/views.py:17 | the recent books are min(5, number of books) distinct books, newest first, and no book left out is newer than one shown |
| Views.AuthorListOrdered | library/views.py:23 | the author list holds every author exactly once, sorted by name |
| Views.BookListOrdered | library/views.py:35 | the book list holds every book exactly once, sorted by title |
| Views.CategoryListOrdered | library/views.py:55 | the category list holds every category exactly once, sorted by name, each with the number of books linked to it |
| Views.AuthorDetail | library/views.py:28-30 | the page exists exactly when the key is an author's, and an error is NotFound; it shows that author and exactly the books written by them |
| Views.AuthorPagesCoverBooks | library/views.py:28-30 | each book is on its author's page and on no other author's page |
| Views.BookDetail | library/views.py:40-44 | the page exists exactly when the key is a book's, and an error is NotFound; it shows exactly that book's categories and publications |
| Views.BookDetailResolves | library/views.py:40-44 | the categories and publishers shown are stored rows, and the publishers of the publications shown are exactly the book's publishers |
| Views.CategoryDetail | library/views.py:60-62 | a shown page is the category with that slug and exactly the books linked to it; an error is NotFound or MultipleObjectsReturned |
| Views.AtMostOneMatch | library/views.py:60 | with unique slugs, at most one category matches a slug |
| Views.CategoryDetailBySlug | library/views.py:60-62 | with unique slugs, the page exists exactly when some category has the slug, and then shows that category; otherwise the error is NotFound |
| Views.LinkSidesAgree | library/views.py:40-62 | a book is on a category's page exactly when that category is on the book's page |

## Left out

- Rendering, request objects, `library/urls.py` and `library/admin.py` are presentation and configuration, not data behaviour. The admin's client-side slug prefill is not the `Category.save` rule.
- Django's `slugify` is a parameter of every call that saves a category. Only injectivity is ever assumed, and only in `Populate.InjectiveSlugifySeeds`.
- The clock is a parameter. `auto_now_add` and `auto_now` fields are the `now` passed to the write.
- `popularity_score` and `avg_rating` are Dafny `real`s. They are carried, never computed, so floating point is not modelled.
- Field-format validation (URL, e-mail, image, `max_length`), `AbstractUser`'s authentication fields, and status transitions of loans and reservations are not modelled. The source declares only choice sets and defaults.
- `PositiveIntegerField` counters are unbounded `nat`s. The database's upper bound of 2^31 - 1 is not modelled.
- Transactions, concurrency and the `self.stdout.write` messages of the seed command are not modelled.
- Views.AuthorListOrdered, Views.BookListOrdered and Views.CategoryListOrdered: names and titles are compared lexicographically by code point. The database collation is not modelled, and the order among equal keys is left unspecified.
- Views.HomeRecentBooks: where a null `publication_date` sorts depends on the database backend. This is the parameter `nullsFirst`.
- Writes.AddReview: a rating outside 1..5 is refused with ValidationError. This is what form or admin validation does. A bare `save()` would store it.
- Writes.UpdateCategory: a save under an absent primary key moves the key counter past that key, as SQLite's AUTOINCREMENT does. A PostgreSQL sequence would not move, so a later insert there could collide; that is not modelled.
- Writes.UpdateCategoryStats: a negative counter is refused with ConstraintViolation, the database's check on a positive integer field.
- Writes.UpdateCategoryStats and Writes.UpdateAuthorStats: a save under an absent primary key moves the key counter past that key, as for `Writes.UpdateCategory`.
- Cascades are proved on values (`Cascade`) and performed in the store as whole-table updates. Only the copy delete and the `SET_NULL` rewrite of views walk rows one at a time.
- Populate.Handle: when the command fails, the contract does not describe the partly saved catalog. Only the error kind is stated.
