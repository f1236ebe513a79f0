/** The one thing the rest of the program needs to know about writing a file in one piece. */
module Store {
  /** Written and synced; in place, though the call failed; or not in place, and the old content stays. */
  datatype Written = Stored | Unsynced | Unwritten
}
