/**
 * ls/ls.h: `struct options`, one flag per command-line option.  The
 * comment beside each field in the header names a letter; where the
 * comment and the option loop of ls/ls.c disagree (`-F` and `-f`), the
 * field is named after what the loop stores in it.  ls/extern.h: the
 * globals every file reports errors through.
 */
module LsOptions {

  datatype Options = Options(
    showHidden: bool,         // -A
    showAll: bool,            // -a
    sortChanged: bool,        // -c
    dirNoContents: bool,      // -d
    showFileSymbol: bool,     // -F
    sortNone: bool,           // -f
    humanReadable: bool,      // -h
    showInode: bool,          // -i
    sizeKilobytes: bool,      // -k
    longFormat: bool,         // -l
    longNumids: bool,         // -n
    printNonprintable: bool,  // -q
    dirRecurse: bool,         // -R
    sortReverse: bool,        // -r
    sortSize: bool,           // -S
    showBlocks: bool,         // -s
    sortModified: bool,       // -t
    sortAccess: bool,         // -u
    printRaw: bool,           // -w
    separateLines: bool,      // -1
    printHeaders: bool)       // set with -R

  /** The zero-initialised global `opts`. */
  const NoOptions := Options(false, false, false, false, false, false, false, false, false, false, false,
                             false, false, false, false, false, false, false, false, false, false)

  /** The globals `errno` and `error_buff`. */
  class Errors {
    var errno: int
    var errorBuff: string

    constructor ()
      ensures errno == 0 && errorBuff == []
    {
      errno := 0;
      errorBuff := [];
    }
  }

  /** The size of `error_buff`. */
  const ErrorBuffSize := 1024
}
