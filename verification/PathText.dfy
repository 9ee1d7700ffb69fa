/** Paths into YAML documents as lists of segments, and how they are written. */
module PathText {
  import opened Strings

  datatype Segment = Child(name: string) | Index(index: nat)

  /** Escapes every single quote. */
  function Escape(name: string): string {
    if name == "" then ""
    else (if name[0] == '\'' then "\\'" else [name[0]]) + Escape(name[1..])
  }

  predicate Quoted(name: string) {
    name != "" && name[0] == '\'' && name[|name| - 1] == '\''
  }

  predicate NeedsQuotes(name: string) {
    '.' in name || '*' in name
  }

  function Normalize(name: string): string {
    if Quoted(name) then name
    else if NeedsQuotes(name) then "'" + Escape(name) + "'"
    else name
  }

  function RenderSegment(s: Segment): string {
    match s
    case Child(name) => "." + Normalize(name)
    case Index(i) => "[" + Itoa(i) + "]"
  }

  function RenderAll(segments: seq<Segment>): string {
    if segments == [] then "" else RenderSegment(segments[0]) + RenderAll(segments[1..])
  }

  function Render(segments: seq<Segment>): string {
    "$" + RenderAll(segments)
  }
}
