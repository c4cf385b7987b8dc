/** The ingested item both engines work on. */
module Mentions {

  /** The name of a source type other than the two named ones. */
  type OtherName = s: string | s != "RSS" && s != "REDDIT"

  /** `sourceType`: `"RSS"`, `"REDDIT"`, or any other name; each string has exactly one
      representation. */
  datatype SourceType = Rss | Reddit | OtherSource(name: OtherName)

  /** A mention: its text, its creation time in milliseconds since the epoch, and where it
      came from. */
  datatype Mention = Mention(
    id: nat,
    text: string,
    createdAt: int,
    sourceType: SourceType,
    sourceName: string,
    url: string)
}
