/** What the track-product page shows for a session state: the error banner
    (`{error && ...}`) and the product panel (`{productDetails && ...}`) with its name, batch
    id and ingredient details, each with its fallback. */
module Display {
  import opened Options
  import opened Strings
  import opened Details
  import opened Lookup

  datatype ProductView = ProductView(name: String, batchId: String, details: DetailsView)

  datatype PageView = PageView(banner: Option<String>, panel: Option<ProductView>)

  /** The product panel: name and batch id never render empty, and the details render as the
      placeholder exactly when the detail string is empty. */
  function RenderProduct(p: Product): (v: ProductView)
    ensures v.name != [] && v.batchId != []
    ensures p.name != [] ==> v.name == p.name
    ensures p.batchId != [] ==> v.batchId == p.batchId
    ensures p.name == [] ==> v.name == NotAvailable
    ensures p.batchId == [] ==> v.batchId == NotAvailable
    ensures v.details.Placeholder? <==> p.details == []
    ensures v.details.EntryList? ==> v.details.entries == ParseDetails(p.details)
  {
    RenderDetailsSpec(p.details);
    ProductView(DisplayText(p.name), DisplayText(p.batchId), RenderDetails(p.details))
  }

  /** The banner shows a non-empty error (an empty string is falsy in the `&&` guard), and
      the panel shows whenever a product is held. */
  function Render(s: State): (v: PageView)
    ensures v.banner.Some? <==> s.error.Some? && s.error.value != []
    ensures v.banner.Some? ==> v.banner == s.error
    ensures v.panel.Some? <==> s.productDetails.Some?
    ensures v.panel.Some? ==> v.panel.value == RenderProduct(s.productDetails.value)
  {
    PageView(
      if s.error.Some? && s.error.value != [] then s.error else None,
      if s.productDetails.Some? then Some(RenderProduct(s.productDetails.value)) else None)
  }

  /** After a started lookup the page shows either the product and no banner, or the
      not-found banner and no product; never both, never neither. */
  lemma RenderAfterLookup(s: State, outcome: Outcome)
    requires !IsBlank(s.productId) && s.contract.Some?
    ensures var v := Render(Fetch(s, outcome).post);
      && (v.banner.Some? != v.panel.Some?)
      && (outcome.Returned? ==> v.panel == Some(RenderProduct(outcome.product)))
      && (outcome.Rejected? ==> v.banner == Some(NotFoundMessage))
  {
    FetchCalled(s, outcome);
  }

  /** A product with an empty name, batch id and detail string renders the fallbacks. */
  lemma EmptyProductFallbacks()
    ensures RenderProduct(Product([], [], [])) ==
              ProductView(NotAvailable, NotAvailable, Placeholder(NoDetails))
  {
    RenderDetailsSpec([]);
    BlankParsesEmpty([]);
  }
}
