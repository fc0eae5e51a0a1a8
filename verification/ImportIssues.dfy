/** The issue vocabulary that both importers report in. Messages are structured values: prose is not modelled. */
module ImportIssues {
  import opened Json

  datatype Level = Error | Unsupported | Lossy | Defaulted

  /** What an issue's message names, beyond its path. */
  datatype Detail =
    | Plain
    | Cycle(walk: seq<string>)   // the services of a reported dependency cycle, in order
    | Shown(text: string)        // a text that the message quotes
    | Quoted(value: Json)        // a value that the message spells out in full
    | RaisedFrom(ms: int)        // the duration that was too short
    | BuildOnly                  // a service that is to be built from source

  /** `path` holds the segments that the original joins with dots. */
  datatype Issue = Issue(level: Level, path: seq<string>, detail: Detail)

  /** The list that an importer hands to its helpers, which append to it. */
  class Report {
    var issues: seq<Issue>

    constructor ()
      ensures issues == []
    {
      issues := [];
    }

    method Push(issue: Issue)
      modifies this
      ensures issues == old(issues) + [issue]
    {
      issues := issues + [issue];
    }
  }
}
