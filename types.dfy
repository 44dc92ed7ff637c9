/** The record shapes shared by the storefront's components. */
module Types {

  /** A catalog entry; the price is an integer amount of currency units. */
  datatype Product = Product(id: int, name: string, price: int, category: string, isPrescription: bool)

  /** A product together with the quantity ordered and the line total. */
  datatype CartItem = CartItem(product: Product, quantity: int, subtotal: int)

  /** The category sentinel that stands for "every category". */
  const AllCategories: string := "all"

  /** No two catalog entries share an id. */
  predicate UniqueIds(catalog: seq<Product>) {
    forall i, j :: 0 <= i < j < |catalog| ==> catalog[i].id != catalog[j].id
  }
}
