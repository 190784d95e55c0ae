/** One row of a published side of the book: the price and the quantity as
    the text the order book hands to its views. */
module Orders {

  datatype Order = Order(price: string, quantity: string)
}
