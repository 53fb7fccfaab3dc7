/** The MallProduct repository's id -> name helper. */
module MallProductData {
  import opened Common
  import IdLookup

  /** The columns of a MallProduct record the helper reads. */
  datatype MallProduct = MallProduct(id: string, productName: string)

  function IdOf(r: MallProduct): string { r.id }
  function ProductNameOf(r: MallProduct): string { r.productName }

  /** `ProductIDToProductName`: product id -> product name, for the products the store returns.
      `find` is the store's batch lookup by ids; `queried` is what it was asked, None when it was not called. */
  method ProductIdToProductName(productIds: seq<string>, find: seq<string> -> Result<seq<MallProduct>, Fault>)
    returns (resp: Result<map<string, string>, Fault>, queried: Option<seq<string>>)
    ensures queried.None? <==> forall x :: x in productIds ==> x == ""
    ensures queried.Some? ==> queried.value == IdLookup.QueryIds(productIds)
    ensures queried.None? ==> resp == Ok(map[])
    ensures queried.Some? && find(queried.value).Err? ==> resp == Err(find(queried.value).error)
    ensures queried.Some? && find(queried.value).Ok? ==>
              resp == Ok(IdLookup.NameMap(find(queried.value).value, IdOf, ProductNameOf))
  {
    resp, queried := IdLookup.IdToName(productIds, find, IdOf, ProductNameOf);
  }
}
