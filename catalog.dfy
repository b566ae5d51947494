/** The catalog record the scraper writes and every search returns. */
module Catalog {
  import opened Wrappers

  /** One course of the catalog: its code ("CSE 100"), title, units (absent when the
      listing gives none), description and prerequisites ("None" when the
      description names none). */
  datatype Course = Course(code: string, title: string, units: Option<string>,
                           desc: string, prereqs: string)
}
