/** The `Paper` record of frontend/lib/api.ts and the actions a card can request on it. */
module PaperTypes {
  import opened Wrappers

  /**
   * A paper as the frontend holds it. `summary` is the `abstract` field (a keyword
   * here); `liked` is optional; `sourceUrl` is the
   * `source_url` field the paper card reads, absent from most responses.
   */
  datatype Paper = Paper(
    id: string,
    title: string,
    authors: seq<string>,
    summary: string,
    publishedDate: string,
    categories: seq<string>,
    liked: Option<bool>,
    sourceUrl: Option<string>)

  /** `paper.liked` as a condition: only an explicit `true` counts. */
  predicate IsLiked(p: Paper)
  {
    p.liked == Some(true)
  }

  datatype Action = Like | Dislike | Delete
}
