/** Why a request ends without data: the exception (or early return) of the
    handler that ends it. The message text Python would put in `msg` is not
    modelled; the reason names its cause. */
module Errors {

  datatype Reason =
    /** `data[...]` raised `KeyError` for this request field. */
    | MissingField(name: string)
    /** `get_db_connection()` returned `None`. */
    | ConnectFailed
    /** The database rejected or failed the step-1 statement, with its message. */
    | StatementFailed(message: string)
    /** The label lookup on this reference table had an empty `IN ()` list,
        which MySQL's grammar rejects (at least one expression is required). */
    | EmptyInList(table: string)
    /** The label lookup on this reference table listed `None`, the text of a
        NULL group key, unquoted in `IN (...)`: MySQL reads it as a column
        name that does not exist and rejects the statement. */
    | NoneInList(table: string)
    /** `label` was read before assignment: the group column is neither
        `student_id` nor `class_id`. */
    | LabelUnassigned(column: string)
    /** `conn` was read in the `finally` clause before assignment. */
    | ConnUnassigned
}
