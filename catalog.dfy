/**
 * The values the search service returns and the client passes around: a
 * product, and the response of a shopping-list search (per query, the
 * products each retailer returned, plus a ranking of retailers).
 */
module Catalog {
  import opened Wrappers
  import opened Strings

  /** A product as the service returns it. An absent `link` is the empty
      string; an absent or non-finite price is `None`. */
  datatype Product = Product(
    id: Option<string>,
    name: string,
    price: Option<int>,
    retailer: Option<string>,
    link: string)

  /** `String(p.id ?? '')`: an absent id reads as the empty string. */
  function IdOrEmpty(p: Product): string {
    p.id.GetOr("")
  }

  /** `String(p.id)`: an absent id reads as the text "undefined". This is
      the key the cart store files a product under. */
  function IdOrUndefined(p: Product): string {
    p.id.GetOr("undefined")
  }

  /** `p.price ?? 0`. */
  function PriceOrZero(p: Product): int {
    p.price.GetOr(0)
  }

  /** `${price ?? ''}`: the decimal text of a price, or nothing. */
  function PriceText(price: Option<int>): string {
    match price
    case Some(n) => IntToString(n)
    case None => ""
  }

  /** `${retailer}` inside a template: an absent value reads "undefined". */
  function RetailerText(p: Product): string {
    p.retailer.GetOr("undefined")
  }

  /** One retailer's answer for one query. */
  datatype RetailerResult = RetailerResult(retailer: string, products: seq<Product>)

  /** One query of the list with every retailer's answer. */
  datatype QueryDetail = QueryDetail(query: Option<string>, results: seq<RetailerResult>)

  /** The response of a list search. `ranking` lists retailers in the
      service's order. */
  datatype ListResponse = ListResponse(
    items: seq<string>,
    detail: seq<QueryDetail>,
    ranking: seq<string>)
}
