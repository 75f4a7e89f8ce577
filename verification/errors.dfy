/** The exceptions that end `read_generic_output` (none of them is caught
    inside it). */
module ReadErrors {

  datatype ReadError =
    | UnsupportedFormat          // the header does not split into 5 tab fields
    | MissingKmerCount(token: string)  // a k-mer token without a colon: IndexError
    | ZeroKmerTotal              // the k-mer counts of a read add up to 0: ZeroDivisionError
    | NoSequenceRead             // no data line had a readable length
    | NoSequencePassed           // no classified read passed the filter
    | ZeroMeanLength(tid: string)  // NORMA over a taxon whose mean length is 0: ZeroDivisionError
    | LogDomain(tid: string)       // LOGLENGTH over a taxon whose mean length is not positive: ValueError
    | UndefinedName(name: string)  // a global the module never defines: NameError
}
