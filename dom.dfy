/**
 * The fetched page as the detector sees it. The DOM queries of the source become
 * sequences extracted in document order; the raw HTML text is kept for the
 * substring and comment scans.
 */
module Dom {
  import opened Wrappers

  /** An element with its `class` and `id` attributes ("" when absent) and whether it has `data-plugin`. */
  datatype Element = Element(cls: string, id: string, hasDataPlugin: bool)

  datatype Page = Page(
    html: string,
    stylesheetHrefs: seq<string>,  // href of every link[rel="stylesheet"], "" when it has none
    scriptSrcs: seq<string>,       // src of every script[src]
    generator: Option<string>,     // content of the first meta[name="generator"]; None when there is none
    elements: seq<Element>)        // every element of the page
}
