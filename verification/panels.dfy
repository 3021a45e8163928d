/** What one results column of a page shows. */
module Panels {

  /** The column lists its items, or shows a notice when there are none. */
  datatype Panel = Listed(items: seq<string>) | Notice(message: string)
}
