/**
 * The catalog entities the client reads from the upstream API: manga with
 * their relationships and tags, chapters, chapter feeds, chapter image
 * descriptors, and manga listings.
 */
module MangaTypes {
  import opened Wrappers
  import opened Js

  /** A related entity: author, artist, cover art, scanlation group, ... */
  datatype Relationship = Relationship(
    id: string,
    kind: string,               // the `type` field
    name: Option<string>,       // `attributes?.name`
    fileName: Option<string>)   // `attributes?.fileName`

  datatype Tag = Tag(id: string, name: Dict)

  datatype MangaAttributes = MangaAttributes(
    title: Option<Dict>,        // `attributes?.title`, None when missing or null
    description: Option<Dict>,
    status: string,
    year: Option<int>,
    tags: Loose<Tag>)

  datatype Manga = Manga(id: string, attributes: MangaAttributes, relationships: Loose<Relationship>)

  datatype Chapter = Chapter(id: string, pages: int, externalUrl: Option<string>)

  /** One page of a manga's chapter feed. */
  datatype ChapterResponse = ChapterResponse(
    result: string, response: string, data: Loose<Chapter>, limit: int, offset: int, total: int)

  /** Where the pages of one chapter are served from. */
  datatype ChapterImagesResponse = ChapterImagesResponse(
    result: string, baseUrl: string, hash: string, data: seq<string>, dataSaver: seq<string>)

  /**
   * A manga listing as parsed from the response body. It is an object because
   * the legacy service overwrites its `data` field in place.
   */
  class MangaResponse {
    const result: string
    const response: string
    var data: Loose<Manga>
    const limit: int
    const offset: int
    const total: int

    constructor (result: string, response: string, data: Loose<Manga>, limit: int, offset: int, total: int)
      ensures this.result == result && this.response == response && this.data == data
      ensures this.limit == limit && this.offset == offset && this.total == total
    {
      this.result, this.response, this.data := result, response, data;
      this.limit, this.offset, this.total := limit, offset, total;
    }
  }
}
