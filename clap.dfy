/** The command-line argument matches produced by clap, as the core reads them. */
module Clap {
  import opened RustStd

  /** Each argument that was given, by name, with its text. */
  type ArgMatches = map<string, string>

  /** `ArgMatches::value_of`: the text of a given argument, `None` for an absent one. */
  function ValueOf(matches: ArgMatches, name: string): (r: Option<string>)
    ensures r.Some? <==> name in matches
    ensures r.Some? ==> r.value == matches[name]
  {
    if name in matches then Some(matches[name]) else None
  }
}
