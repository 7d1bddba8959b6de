/** The user-side tables (users/models.py). */
module Accounts {
  import opened Basics

  /** The favourite categories of a user live in a link table of the store. */
  datatype LibraryUser = LibraryUser(bio: string := "", profileImage: string := "")

  /** The books of a list live in a link table of the store. */
  datatype ReadingList = ReadingList(user: Id, name: string, createdAt: Timestamp,
                                     description: string := "", isPublic: bool := false)

  datatype BookReview = BookReview(user: Id, book: Id, rating: int, comment: string, createdAt: Timestamp)

  /** The choices of BookReview.rating: 1 to 5. */
  predicate RatingChoice(rating: int)
  {
    1 <= rating <= 5
  }
}
