/** The paper list of frontend/components/paper-feed.tsx. */
module PaperFeed {
  import opened Wrappers
  import opened Lists
  import opened PaperTypes
  import PaperCard

  datatype FeedFilter = AllPapers | LikedPapers | RecentPapers

  /** The list after a like or dislike: `liked` set on the papers with the id, nothing else. */
  function SetLiked(papers: seq<Paper>, id: string, like: bool): (r: seq<Paper>)
    ensures |r| == |papers|
    ensures forall i :: 0 <= i < |r| && papers[i].id == id ==> r[i] == papers[i].(liked := Some(like))
    ensures forall i :: 0 <= i < |r| && papers[i].id != id ==> r[i] == papers[i]
  {
    seq(|papers|, i requires 0 <= i < |papers| =>
      if papers[i].id == id then papers[i].(liked := Some(like)) else papers[i])
  }

  /** The list after a delete: every paper with the id removed, the rest in order. */
  function RemovePaper(papers: seq<Paper>, id: string): (r: seq<Paper>)
    ensures forall p :: p in r ==> p.id != id
    ensures forall p :: p in papers && p.id != id ==> p in r
    ensures forall p :: p in r ==> p in papers
    ensures exists idx :: PicksInOrder(papers, r, idx) && forall i :: 0 <= i < |papers| ==> (papers[i].id != id <==> i in idx)
  {
    var keep := (p: Paper) => p.id != id;
    FilterInOrder(papers, keep);
    Filter(papers, keep)
  }

  /** The request filters `loadPapers` sends. */
  datatype RequestFilters = RequestFilters(recent: bool, category: Option<string>)

  function RequestFiltersFor(filter: FeedFilter): (r: RequestFilters)
    ensures r.recent <==> filter == RecentPapers
    ensures filter == LikedPapers <==> r.category == Some("liked")
    ensures filter != LikedPapers <==> r.category.None?
  {
    RequestFilters(filter == RecentPapers, if filter == LikedPapers then Some("liked") else None)
  }

  /** Clicking the like button of a paper and committing the action flips its liked state. */
  lemma LikeButtonFlips(papers: seq<Paper>, i: nat)
    requires i < |papers|
    ensures var a := PaperCard.LikeAction(papers[i]);
            SetLiked(papers, papers[i].id, a == Like)[i].liked == Some(!IsLiked(papers[i]))
  {
  }

  class Feed {
    var papers: seq<Paper>
    var filter: FeedFilter

    constructor()
      ensures papers == [] && filter == AllPapers
    {
      papers := [];
      filter := AllPapers;
    }

    /**
     * A filter tab click: the filter changes and the reload it triggers asks the
     * server for the request filters of the new tab; the list is left as it was
     * until that reload answers.
     */
    method SetFilter(f: FeedFilter) returns (request: RequestFilters)
      modifies this
      ensures filter == f && papers == old(papers)
      ensures request == RequestFiltersFor(f)
    {
      filter := f;
      request := RequestFiltersFor(f);
    }

    /**
     * `handlePaperAction` once the API call has settled: like and dislike set `liked`
     * on the matching papers, delete removes them; a failed call changes nothing.
     */
    method HandlePaperAction(paperId: string, action: Action, apiSucceeded: bool)
      modifies this
      ensures !apiSucceeded ==> papers == old(papers)
      ensures apiSucceeded && action != Delete ==> papers == SetLiked(old(papers), paperId, action == Like)
      ensures apiSucceeded && action == Delete ==> papers == RemovePaper(old(papers), paperId)
      ensures filter == old(filter)
    {
      if !apiSucceeded {
        return;
      }
      if action == Like || action == Dislike {
        papers := SetLiked(papers, paperId, action == Like);
      } else {
        papers := RemovePaper(papers, paperId);
      }
    }

    /**
     * `filteredPapers`: the whole list, or only the liked papers. The "recent" test
     * reads the clock and is the parameter `isRecent`.
     */
    function FilteredPapers(isRecent: Paper -> bool): (r: seq<Paper>)
      reads this
      ensures filter == AllPapers ==> r == papers
      ensures filter == LikedPapers ==> forall p :: p in r <==> p in papers && IsLiked(p)
      ensures filter == RecentPapers ==> forall p :: p in r <==> p in papers && isRecent(p)
      ensures filter == LikedPapers ==> exists idx :: KeptAt(papers, IsLiked, r, idx)
      ensures filter == RecentPapers ==> exists idx :: KeptAt(papers, isRecent, r, idx)
    {
      match filter
      case AllPapers =>
        FilterKeepsAll(papers, (p: Paper) => true);
        Filter(papers, (p: Paper) => true)
      case LikedPapers =>
        FilterInOrder(papers, IsLiked);
        Filter(papers, IsLiked)
      case RecentPapers =>
        FilterInOrder(papers, isRecent);
        Filter(papers, isRecent)
    }
  }
}
