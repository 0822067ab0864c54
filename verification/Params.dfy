/** The limits of kernel/param.h that the log and the file system share. */
module Params {
  const MAXOPBLOCKS := 10 // the most blocks that one operation writes
  const LOGSIZE := 30     // the most blocks that the log holds
}
