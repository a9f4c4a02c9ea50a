/**
 * The input the simulator reads once before it starts (index.js): an array
 * of orders, each with its order number and its rows. A row's priority is a
 * non-negative integer; lower numbers are served first.
 */
module Orders {

  datatype Row = Row(cardid: int, quantity: int, priority: nat)

  datatype Order = Order(order: int, rows: seq<Row>)
}
