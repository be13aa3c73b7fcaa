/** Failure-carrying values that stand for Python's raised exceptions. */
module Wrappers {

  datatype Option<+T> = None | Some(value: T)

  /** The value a call returns, or the exception it raises. */
  datatype Result<+T, +E> = Ok(value: T) | Err(error: E)

  /** The outcome of a call that returns `None` in Python, or raises. */
  datatype Outcome<+E> = Pass | Fail(error: E)
}

/** The exceptions the core raises. */
module Failures {

  /** Why a constructor raised `ValueError`. */
  datatype Reason =
    | NegativeIdentifier   // an identifier below zero
    | EmptyName            // `Name("")`
    | EmptyProducts        // a meiro `Order` without products
    | NonPositiveQuantity  // an order line whose quantity is zero or less

  datatype Error =
    | ValueError(reason: Reason)
      /** `DomainError("Product {p} is not present")` */
    | DomainError(missingProduct: int)
      /** `ConflictError("Order {id} already exists")` */
    | ConflictError(orderId: int)
      /** `TypeError`: an argument of a type the callee cannot use */
    | TypeError
}
