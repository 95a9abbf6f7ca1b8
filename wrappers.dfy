/** Optional values, standing for the cells that the spreadsheet may leave empty. */
module Wrappers {

  datatype Option<+T> = None | Some(value: T)

}
