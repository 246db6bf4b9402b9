/** The conventional optional value, used wherever the database holds a nullable column
    or a query may return no row. */
module Options {

  datatype Option<+T> = None | Some(value: T)
}
