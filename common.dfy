/** Shared vocabulary of the server actions: identifiers, the caller's session and the
    result every action returns instead of throwing. */
module Common {

  /** Record identifiers (UUIDs in the database) are modelled as natural numbers. */
  type Id = nat

  /** A point in time (a JavaScript `Date`); the clock is a parameter of every action. */
  type Time = int

  datatype Option<T> = None | Some(value: T) {
    function GetOr(default: T): T {
      match this
      case Some(v) => v
      case None => default
    }
  }

  /** User roles (src/types/index.ts). */
  datatype Role = Student | Instructor | Admin

  /** The authenticated caller: `session.user.id` and `session.user.role`.
      A missing session is `None` in an `Option<Session>`. */
  datatype Session = Session(userId: Id, role: Role)

  /** The failure kinds the actions return; `Failed` is the catch-all branch that a thrown
      storage or validation error ends in. */
  datatype Error =
    | Unauthorized
    | NotFound
    | Forbidden
    | AlreadyEnrolled
    | NotEnrolled
    | NotCompleted
    | AlreadySubmitted
    | InvalidRating
    | NotPurchasable
    | InvalidSignature
    | PaymentNotCompleted
    | Failed

  datatype Result<T> = Ok(value: T) | Err(error: Error)

  /** True when `caller` is the given owner or an administrator: the guard
      `x.instructorId !== session.user.id && session.user.role !== 'admin'` negated. */
  predicate OwnerOrAdmin(caller: Session, owner: Id) {
    caller.userId == owner || caller.role == Admin
  }
}
