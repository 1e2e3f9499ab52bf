/** The fixed product database searched by the shopping tools (tools.py, `results`). */
module Catalogue {

  datatype Product = Product(
    name: string,
    color: string,
    price: real,
    size: string,
    inStock: bool,
    store: string,
    delivery: string)

  const Products: seq<Product> := [
    Product("Floral Skirt", "multi", 35.0, "S", true, "SiteA", "3-day"),
    Product("White Sneakers", "white", 65.0, "8", true, "SiteB", "2-day"),
    Product("Casual Denim Jacket", "blue", 80.0, "M", true, "SiteA", "2-day"),
    Product("Cocktail Dress", "red", 120.0, "M", true, "SiteB", "4-day"),
    Product("Summer Floral Dress", "yellow", 75.0, "S", true, "SiteC", "3-day"),
    Product("Classic White Sneakers", "white", 55.0, "8", true, "SiteA", "5-day"),
    Product("Vintage Denim Jacket", "blue", 75.0, "M", true, "SiteC", "2-day"),
    Product("Sport White Sneakers", "white", 65.0, "8", true, "SiteB", "2-day"),
    Product("Canvas White Sneakers", "white", 45.99, "8", true, "SiteC", "3-day")
  ]

  const Stores: set<string> := {"SiteA", "SiteB", "SiteC"}
}
