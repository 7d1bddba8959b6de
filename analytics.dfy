/** View logs, aggregate snapshots and recommendation logs (analytics/models.py). */
module Analytics {
  import opened Basics

  /** `user` is nullable: deleting the user keeps the view and clears the reference. */
  datatype BookView = BookView(book: Id, user: Option<Id>, timestamp: Timestamp)

  /** The float score is carried, never computed. */
  datatype CategoryAnalytics = CategoryAnalytics(category: Id, lastUpdated: Timestamp,
                                                 totalViews: nat := 0, totalBooks: nat := 0,
                                                 popularityScore: real := 0.0)

  datatype AuthorAnalytics = AuthorAnalytics(author: Id, lastUpdated: Timestamp,
                                             totalViews: nat := 0, avgRating: real := 0.0,
                                             totalReviews: nat := 0)

  datatype RecommendationLog = RecommendationLog(user: Id, book: Id, reason: string,
                                                 timestamp: Timestamp, clicked: bool := false)
}
