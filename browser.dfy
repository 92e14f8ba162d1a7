/**
  The browser as both scrapers see it: every call into the driver either
  returns a value or raises. The outcomes are data chosen by the caller, so a
  property proved for every outcome holds whatever the page or the driver does.
 */
module Browser {
  import opened Wrappers

  /** The outcome of one driver call: it raised, or it returned a value. */
  datatype Read<+T> = Raises | Returns(value: T)

  /** One scraped job: title, company and link; the link is `None` when the
      `href` attribute was absent (`get_attribute` returned `None`). */
  datatype Listing = Listing(title: string, company: string, link: Option<string>)

  /** The scraper's handle on the browser process: none created yet, created
      and running, or quit. */
  datatype DriverState = Absent | Live | Quit
}
