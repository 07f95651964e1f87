/** The shapes of the coverage result the formatter reads. They belong to the
    coverage library; the formatter only queries them. */
module Coverage {

  /** A line's own status, as the coverage library reports it. */
  datatype RawStatus = Covered | Missed | Never | Skipped {
    /** The CSS class string the library hands out for the status. */
    function Name(): (r: string)
      ensures r != MissedBranchName
    {
      match this
      case Covered => "covered"
      case Missed => "missed"
      case Never => "never"
      case Skipped => "skipped"
    }
  }

  /** The status string the formatter adds on top of the raw ones. */
  const MissedBranchName: string := "missed-branch"

  /** A line of a source file: its number and its own status. */
  datatype Line = Line(number: nat, status: RawStatus)

  /** A source file of the result, as far as the formatter queries it: its absolute
      path and the numbers of the lines holding at least one branch never taken. */
  datatype SourceFile = SourceFile(filename: string, missedBranchLines: set<nat>) {
    predicate LineWithMissedBranch(n: nat) {
      n in missedBranchLines
    }
  }
}
