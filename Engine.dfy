/** What the embedded query engine hands back to the viewer. The engine itself
    (registering a file buffer, running SQL, DESCRIBE) is outside the model: every
    call is represented by its reply, success with a value or failure with the
    engine's error message. */
module Engine {

  /** Reply of a call that yields a value, such as `conn.query(...)` followed by `toArray()`. */
  datatype Result<T> = Ok(value: T) | Err(message: string)

  /** Reply of a call that yields nothing of interest, such as `registerFileBuffer` or `DROP VIEW`. */
  datatype Outcome = Pass | Fail(message: string)

  /** One result row after `toJSON()`: column name to rendered cell value. */
  datatype Row = Row(cells: map<string, string>)
}
