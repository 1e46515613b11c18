/** The argument check of the `up` command (`bin/commands/up.js`): which
    combinations of `--all`, `--content-type` and the `[file]` positional
    are refused, and with which message. */
module UpCommand {
  import opened Wrappers

  /** What the check hands back to the argument parser: `true`, or a message
      that refuses the command line. */
  datatype CheckResult = Accepted | Refused(message: string)

  const MutuallyExclusive := "Arguments 'content-type' and 'all' are mutually exclusive"
  const AtLeastOne := "At least one of 'all' or 'content-type' options must be specified"
  const FileWithAll := "[file] cannot be specified together with 'all' option"

  /** JavaScript truthiness of `argv.file`: given and not empty. */
  predicate FileGiven(file: Option<string>) {
    file.Some? && file.value != ""
  }

  /** The check run on the parsed arguments. The three tests run in order, so
      when several apply the first one's message is reported. */
  function CheckArguments(all: bool, contentTypes: seq<string>, file: Option<string>): (r: CheckResult)
    ensures r == Accepted <==>
      (all && |contentTypes| == 0 && !FileGiven(file)) || (!all && |contentTypes| > 0)
    ensures all && |contentTypes| > 0 ==> r == Refused(MutuallyExclusive)
    ensures !all && |contentTypes| == 0 ==> r == Refused(AtLeastOne)
    ensures all && |contentTypes| == 0 && FileGiven(file) ==> r == Refused(FileWithAll)
    ensures r.Refused? ==> r.message in {MutuallyExclusive, AtLeastOne, FileWithAll}
  {
    if all && |contentTypes| > 0 then Refused(MutuallyExclusive)
    else if !all && |contentTypes| == 0 then Refused(AtLeastOne)
    else if all && FileGiven(file) then Refused(FileWithAll)
    else Accepted
  }
}
