/** The branch, copy, loan and reservation tables (management/models.py). */
module Circulation {
  import opened Basics

  datatype LibraryBranch = LibraryBranch(name: string, address: string, phone: string,
                                         email: string, openingHours: string)

  /** BookCopy.CONDITION_CHOICES. */
  datatype Condition = New | Good | Fair | Poor | Damaged

  datatype BookCopy = BookCopy(book: Id, branch: Id, acquisitionDate: Date, inventoryNumber: string,
                               condition: Condition := Good, isAvailable: bool := true,
                               notes: string := "")

  /** BookLoan.STATUS_CHOICES. */
  datatype LoanStatus = Active | Returned | Overdue | Lost

  datatype BookLoan = BookLoan(copy: Id, borrower: Id, checkoutDate: Date, dueDate: Date,
                               returnDate: Option<Date> := None, status: LoanStatus := Active)

  /** The status choices of Reservation. */
  datatype ReservationStatus = Pending | Ready | Fulfilled | Cancelled

  datatype Reservation = Reservation(book: Id, user: Id, branch: Id, requestDate: Timestamp,
                                     status: ReservationStatus := Pending)
}
