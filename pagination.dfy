/**
 * The paginated collection documents of drf_hal_json/pagination.py. What
 * DRF's paginators compute for the current page (the request's absolute
 * URI, the cursor base URL, the next and previous page links, the object
 * count and the page size) is held by the paginator as given values.
 */
module HalPagination {
  import opened Json
  import opened HalSerializers

  const NextLink := "next"
  const PreviousLink := "previous"
  const CountKey := "count"
  const PageSizeKey := "page_size"
  const ItemsKey := "items"

  /** `_links` of an envelope: self, next and previous, in that order, next and previous possibly None. */
  predicate EnvelopeLinks(links: Entries, self: Json, next: Json, previous: Json) {
    && Keys(links) == [UrlFieldName, NextLink, PreviousLink]
    && Get(links, UrlFieldName) == Some(self)
    && Get(links, NextLink) == Some(next)
    && Get(links, PreviousLink) == Some(previous)
  }

  /** `_embedded` of an envelope: the page's data, untouched, under `items`. */
  predicate EnvelopeItems(result: Entries, data: Json) {
    Get(result, EmbeddedFieldName) == Some(JObj([(ItemsKey, data)]))
  }

  /** The three links, assigned one after the other into an empty ordered dict. */
  method BuildLinks(self: Json, next: Json, previous: Json) returns (links: Entries)
    ensures EnvelopeLinks(links, self, next, previous)
  {
    links := [];
    links := Put(links, UrlFieldName, self);
    links := Put(links, NextLink, next);
    links := Put(links, PreviousLink, previous);
  }

  class HalPageNumberPagination {
    const absoluteUri: Json
    const nextLink: Json
    const previousLink: Json
    const count: int
    const pageSize: Json

    constructor(absoluteUri: Json, nextLink: Json, previousLink: Json, count: int, pageSize: Json)
      ensures this.absoluteUri == absoluteUri && this.nextLink == nextLink && this.previousLink == previousLink
      ensures this.count == count && this.pageSize == pageSize
    {
      this.absoluteUri := absoluteUri;
      this.nextLink := nextLink;
      this.previousLink := previousLink;
      this.count := count;
      this.pageSize := pageSize;
    }

    /**
     * `get_paginated_response`: `_links`, then the object count and the page
     * size, then `_embedded.items`.
     */
    method GetPaginatedResponse(data: Json) returns (result: Entries)
      ensures Keys(result) == [LinksFieldName, CountKey, PageSizeKey, EmbeddedFieldName]
      ensures exists links ::
        Get(result, LinksFieldName) == Some(JObj(links)) && EnvelopeLinks(links, absoluteUri, nextLink, previousLink)
      ensures Get(result, CountKey) == Some(JInt(count))
      ensures Get(result, PageSizeKey) == Some(pageSize)
      ensures EnvelopeItems(result, data)
    {
      var links := BuildLinks(absoluteUri, nextLink, previousLink);
      result := [];
      result := Put(result, LinksFieldName, JObj(links));
      result := Put(result, CountKey, JInt(count));
      assert Keys(result) == [LinksFieldName, CountKey];
      result := Put(result, PageSizeKey, pageSize);
      assert Keys(result) == [LinksFieldName, CountKey, PageSizeKey];
      result := Put(result, EmbeddedFieldName, JObj([(ItemsKey, data)]));
    }
  }

  class HalCursorPagination {
    const baseUrl: Json
    const nextLink: Json
    const previousLink: Json

    constructor(baseUrl: Json, nextLink: Json, previousLink: Json)
      ensures this.baseUrl == baseUrl && this.nextLink == nextLink && this.previousLink == previousLink
    {
      this.baseUrl := baseUrl;
      this.nextLink := nextLink;
      this.previousLink := previousLink;
    }

    /** `get_paginated_response`: `_links` with the cursor base URL as self, then `_embedded.items`; no counters. */
    method GetPaginatedResponse(data: Json) returns (result: Entries)
      ensures Keys(result) == [LinksFieldName, EmbeddedFieldName]
      ensures CountKey !in Keys(result) && PageSizeKey !in Keys(result)
      ensures exists links ::
        Get(result, LinksFieldName) == Some(JObj(links)) && EnvelopeLinks(links, baseUrl, nextLink, previousLink)
      ensures EnvelopeItems(result, data)
    {
      var links := BuildLinks(baseUrl, nextLink, previousLink);
      result := [];
      result := Put(result, LinksFieldName, JObj(links));
      result := Put(result, EmbeddedFieldName, JObj([(ItemsKey, data)]));
    }
  }
}
