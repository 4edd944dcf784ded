/**
 * The backend's interaction service (backend/app/services/handle_interaction.py):
 * the weight of an interaction kind and the category deltas it induces for a paper.
 */
module Interactions {
  import opened Wrappers
  import Embedding

  /** The backend's own `InteractionType` enumeration, whose value is the weight. */
  datatype InteractionType = Like | Dislike | View | Bookmark | Share | Delete

  function Value(t: InteractionType): real
  {
    match t
    case Like => 1.0
    case Dislike => -0.5
    case View => 0.1
    case Bookmark => 0.8
    case Share => 0.6
    case Delete => -0.9
  }

  /**
   * `user_interaction`: looks the lower-case name up in a fixed table; any other
   * string (including another capitalisation) is a `KeyError`.
   */
  function UserInteraction(name: string): (r: Result<real>)
    ensures r.Err? <==> name !in {"like", "dislike", "view", "bookmark", "share", "delete"}
    ensures r.Err? ==> r.error == KeyError(name)
    ensures r.Ok? ==> -1.0 < r.value <= 1.0 && r.value != 0.0
  {
    match name
    case "like" => Ok(Value(Like))
    case "dislike" => Ok(Value(Dislike))
    case "view" => Ok(Value(View))
    case "bookmark" => Ok(Value(Bookmark))
    case "share" => Ok(Value(Share))
    case "delete" => Ok(Value(Delete))
    case _ => Err(KeyError(name))
  }

  /**
   * The backend table agrees with the agents' weight table: every name the backend
   * accepts is parsed by the agents' service to a kind of the same weight.
   */
  lemma WeightsAgree(name: string)
    requires UserInteraction(name).Ok?
    ensures Embedding.ParseInteraction(name).Ok?
    ensures Embedding.Weight(Embedding.ParseInteraction(name).value) == UserInteraction(name).value
  {
    var t :| t in {Embedding.Like, Embedding.Dislike, Embedding.View, Embedding.Bookmark,
                   Embedding.Share, Embedding.Delete} && Embedding.KindName(t) == name;
    assert Embedding.ToLower(name) == name;
    assert Embedding.ParseInteraction(name) == Ok(t);
  }

  /**
   * The category fields of a paper: `None` is a missing key. An empty string or an
   * empty list is present but falsy.
   */
  datatype CategorizedPaper = CategorizedPaper(primaryCategory: Option<string>, categories: Option<seq<string>>)

  /** The set of categories the paper names: the primary one if non-empty, and every listed one. */
  function PaperCategories(paper: CategorizedPaper): set<string>
  {
    (if paper.primaryCategory.Some? && paper.primaryCategory.value != "" then {paper.primaryCategory.value} else {})
    + (if paper.categories.Some? then set c | c in paper.categories.value else {})
  }

  /**
   * `user_paper_interaction`: every category of the paper gets the interaction's
   * weight as its delta; an unknown interaction name is a `KeyError`.
   */
  function UserPaperInteraction(paper: CategorizedPaper, name: string): (r: Result<map<string, real>>)
    ensures r.Err? <==> UserInteraction(name).Err?
    ensures r.Ok? ==> r.value.Keys == PaperCategories(paper)
    ensures r.Ok? ==> forall c :: c in r.value ==> r.value[c] == UserInteraction(name).value
  {
    match UserInteraction(name)
    case Err(e) => Err(e)
    case Ok(w) => Ok(map c | c in PaperCategories(paper) :: w)
  }

  /** A paper whose category fields are missing or empty produces no deltas. */
  lemma {:induction false} NoCategoriesNoDeltas(paper: CategorizedPaper, name: string)
    requires paper.primaryCategory.None? || paper.primaryCategory == Some("")
    requires paper.categories.None? || paper.categories == Some([])
    requires UserInteraction(name).Ok?
    ensures UserPaperInteraction(paper, name) == Ok(map[])
  {
    assert PaperCategories(paper) == {};
  }

  /** Listing the primary category again among the categories changes nothing: the keys are a set. */
  lemma {:induction false} DuplicateCategoryCollapses(primary: string, rest: seq<string>, name: string)
    requires primary != ""
    ensures UserPaperInteraction(CategorizedPaper(Some(primary), Some(rest + [primary])), name)
         == UserPaperInteraction(CategorizedPaper(Some(primary), Some(rest)), name)
  {
    assert PaperCategories(CategorizedPaper(Some(primary), Some(rest + [primary])))
        == PaperCategories(CategorizedPaper(Some(primary), Some(rest)));
  }
}
