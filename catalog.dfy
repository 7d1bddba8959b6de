/** The catalog tables (library/models.py). */
module Catalog {
  import opened Basics

  datatype Author = Author(name: string, birthDate: Option<Date> := None, biography: string := "")

  /** Stored under its author's id: the author is the profile's primary key. */
  datatype AuthorProfile = AuthorProfile(website: string := "", twitterHandle: string := "", photo: string := "")

  datatype Category = Category(name: string, description: string := "", slug: string := "")

  datatype Publisher = Publisher(name: string, website: string := "", email: string := "")

  /** The categories and publishers of a book live in link tables of the store. */
  datatype Book = Book(title: string, author: Id, isbn: string,
                       publicationDate: Option<Date> := None, summary: string := "")

  /** The through-row of the book/publisher relation. */
  datatype Publication = Publication(book: Id, publisher: Id, datePublished: Date, country: string)

  /** What Category.save writes: an empty slug is replaced by the slugified name. */
  function WithSlug(c: Category, slugify: string -> string): Category
  {
    if c.slug == "" then c.(slug := slugify(c.name)) else c
  }

  /** Saving fills the slug from the name exactly when it was empty, and touches nothing else. */
  lemma SlugFilledOnlyWhenEmpty(c: Category, slugify: string -> string)
    ensures WithSlug(c, slugify).slug == if c.slug == "" then slugify(c.name) else c.slug
    ensures WithSlug(c, slugify).(slug := c.slug) == c
  {
  }

  /** Once a slug is set, later edits of the name never regenerate it. */
  lemma SlugSurvivesRename(c: Category, newName: string, slugify: string -> string)
    requires c.slug != ""
    ensures WithSlug(c.(name := newName), slugify).slug == c.slug
  {
  }

  /** Saving twice writes the same row as saving once. */
  lemma SlugRuleIdempotent(c: Category, slugify: string -> string)
    ensures WithSlug(WithSlug(c, slugify), slugify) == WithSlug(c, slugify)
  {
  }
}
