/** URLs as the crawler handles them: plain strings compared by prefix. */
module Urls {

  type Url = string

  /** The prefix that marks a reference as absolute (`ABSOLUTE_PATH_START`). */
  const ABSOLUTE_PATH_START: string := "http"

  /** Python's `str.startswith`. */
  predicate StartsWith(s: string, prefix: string) {
    |prefix| <= |s| && s[..|prefix|] == prefix
  }

  /** A link the crawler is willing to follow: it lies under the site's base
      URL, or it is not an absolute `http…` reference at all. */
  predicate InScope(mainUrl: Url, link: Url) {
    StartsWith(link, mainUrl) || !StartsWith(link, ABSOLUTE_PATH_START)
  }
}
