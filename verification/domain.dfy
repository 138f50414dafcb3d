/** The entities and the error values shared by the layers of the service. */
module Domain {
  import opened Wrappers
  import opened GoInt

  /** A `pgtype.Timestamp`. Nothing in the service looks inside one; it is only stored and passed on. */
  datatype Timestamp = Timestamp(instant: int, valid: bool)

  /** A stored row of the `service` table. */
  datatype Service = Service(id: Int64, serviceName: string, serviceDescription: string, serviceTime: Timestamp)

  /** A partial update: a field that is None leaves its column unchanged. */
  datatype UpdateService = UpdateService(
    serviceName: Option<string>,
    serviceDescription: Option<string>,
    serviceTime: Option<Timestamp>)

  /** The errors that cross layer boundaries: `sql.ErrNoRows`, the domain's `ErrServiceNotFound`,
      any other failure (of the store, of a body read, of JSON), and an error that wraps a cause. */
  datatype Error =
    | ErrNoRows
    | ErrServiceNotFound
    | Failure(message: string)
    | Wrapped(context: string, cause: Error)

  /** `errors.Is(err, target)`: err, or some error along its chain of causes, is target.
      The targets the service tests against are the two sentinels. */
  predicate Is(err: Error, target: Error) {
    err == target || (err.Wrapped? && Is(err.cause, target))
  }
}
