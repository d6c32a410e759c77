/** The sales record the dashboard receives from the data source, and the two
    services of the JavaScript host that the dashboard uses but does not define. */
module Transactions {

  /** One sales record, taken as delivered (nothing is validated on ingestion).
      `price` is exact here; the host uses binary floating point. */
  datatype Transaction = Transaction(
    id: int,
    title: string,
    description: string,
    price: real,
    category: string,
    sold: bool,
    dateOfSale: string,
    image: string)

  /** The host's `String.prototype.toLowerCase` (`lower`) and the long month
      name that `new Date(d).toLocaleString('default', { month: 'long' })`
      gives for a sale date (`monthName`). Both are left uninterpreted: every
      result in this model holds for whatever functions are supplied. */
  datatype Locale = Locale(lower: string -> string, monthName: string -> string)
}
