/** A club as both client components keep it: its slug id, display name and spreadsheet id. */
module Clubs {
  datatype Club = Club(id: string, name: string, sheetId: string)
}
