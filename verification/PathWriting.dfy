/** Writing a linked path and reading the text again. */
module PathWriting {
  import opened PathText
  import opened PathParse
  import opened PathRoundTrip
  import opened PathMisread
  import YamlPath

  /** The path read is a new one with the same segments if and only if every selector is a plain or a
      quoted name, every index fits, and no selector before the last one has a quote inside quotes. */
  method WriteAndRead(p: YamlPath.Path) returns (text: string, r: Read)
    requires p.Valid()
    ensures text == Render(p.Steps())
    ensures r.Built? && r.path != null ==> fresh(r.path) && r.path.Valid()
    ensures r.Built? && r.path != null && r.path.Steps() == p.Steps() <==> AllWritable(p.Steps()) && QuotesAtEnd(p.Steps())
  {
    hide Parse, Render, AllWritable, QuotesAtEnd;
    text := p.String();
    r := FromString(text);
    RoundTripExactly(p.Steps());
  }
}
