/**
  The checks the program applies to the operator's answers before it starts:
  a music directory and an output directory that are not empty, and an output
  format among those offered. A failed check ends the program with a message.
 */
module Prompts {
  import opened Wrappers

  const InvalidPath: string := "You need to enter a valid path"
  const UnsupportedFormat: string := "The format option you asked for is not supported."

  /** The formats the prompt offers. */
  const Formats: set<string> := {"csv", "pdf", "html"}

  /** The check on the music directory and on the output directory. */
  function CheckDirectory(input: string): (r: Result<string, string>)
    ensures r.Success? <==> input != ""
    ensures r.Success? ==> r.value == input
    ensures r.Failure? ==> r.error == InvalidPath
  {
    if input == "" then Failure(InvalidPath) else Success(input)
  }

  /** The check on the output format. */
  function CheckFormat(input: string): (r: Result<string, string>)
    ensures r.Success? <==> input in Formats
    ensures r.Success? ==> r.value == input
    ensures r.Failure? ==> r.error == UnsupportedFormat
  {
    if input != "csv" && input != "pdf" && input != "html" then Failure(UnsupportedFormat)
    else Success(input)
  }
}
