/**
 * The rows of the hosted database that the core reads and writes. Money is
 * counted in integer cents (centavos of R$), timestamps are integers that
 * order like the `created_at` column, and identifiers are texts (an empty
 * text plays the part of a missing JavaScript value).
 */
module Schema {
  import opened Common

  type Id = string

  /** The `ecopoint_status` enum. */
  datatype EcopointStatus = Pending | Validated | Rejected

  /** The `donation_status` enum. */
  datatype DonationStatus = Pending | Completed | Failed

  /** The columns of an `ecopoints` row that the core looks at. */
  datatype Ecopoint = Ecopoint(
    id: Id,
    name: string,
    ownerId: Option<Id>,
    importedBy: Option<Id>,
    status: EcopointStatus,
    acceptsDonations: bool,
    validationEmailSent: bool)

  /** A `donations` row; `amount` is in cents. */
  datatype Donation = Donation(
    id: Id,
    ecopointId: Id,
    userId: Id,
    amount: int,
    paymentId: string,
    status: DonationStatus,
    createdAt: int)

  /** One call of the `increment_user_reputation` database function, whose
      body is not part of this model: the arguments are recorded, the effect
      is the database's. */
  datatype ReputationIncrement = ReputationIncrement(
    userId: Id,
    points: int,
    donationIncrement: int,
    reviewIncrement: int)

  function Amount(d: Donation): int { d.amount }

  predicate IsCompleted(d: Donation) { d.status == DonationStatus.Completed }

  /** `filter(d => d.status === 'completed')`. */
  function CompletedOnly(ds: seq<Donation>): seq<Donation> {
    Filter(ds, IsCompleted)
  }

  /** `filter(completed).reduce((sum, d) => sum + d.amount, 0)`. */
  function CompletedTotal(ds: seq<Donation>): int {
    SumOf(CompletedOnly(ds), Amount)
  }

  /** The outcome of a call into the database or a provider SDK whose body is
      not part of this model. */
  datatype Remote<T> = Failure | Success(data: T)
}
