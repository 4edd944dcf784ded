/** The display helpers of frontend/components/paper-card.tsx. */
module PaperCard {
  import opened Wrappers
  import opened Text
  import opened PaperTypes

  const DefaultMaxLength: nat := 200
  const Ellipsis: string := "..."

  /**
   * `truncateAbstract`: text that fits is shown whole; longer text is cut to
   * `maxLength` characters and marked with an ellipsis.
   */
  function TruncateAbstract(text: string, maxLength: nat := DefaultMaxLength): (r: string)
    ensures |text| <= maxLength ==> r == text
    ensures |text| > maxLength ==> |r| == maxLength + 3 && StartsWith(r, text[..maxLength]) && r[maxLength..] == Ellipsis
    ensures |r| <= maxLength + 3
  {
    if |text| <= maxLength then text else text[..maxLength] + Ellipsis
  }

  /** The "Read more" toggle is rendered for abstracts longer than the default limit. */
  predicate ShowReadMore(summary: string)
  {
    |summary| > DefaultMaxLength
  }

  /**
   * The toggle appears exactly when the collapsed abstract is a truncated one, told
   * apart by its length alone: 203 characters with the toggle, at most 200 without.
   */
  lemma ReadMoreIffTruncated(summary: string)
    ensures ShowReadMore(summary) <==> |TruncateAbstract(summary)| == DefaultMaxLength + 3
    ensures !ShowReadMore(summary) <==> |TruncateAbstract(summary)| <= DefaultMaxLength
  {
  }

  /**
   * The toggle can appear while the collapsed text equals the abstract: a 203-character
   * abstract that ends in "..." truncates to itself.
   */
  lemma ReadMoreWithUnchangedText()
    ensures exists s :: ShowReadMore(s) && TruncateAbstract(s) == s
  {
    var a := seq(DefaultMaxLength, _ => 'a');
    var s := a + Ellipsis;
    assert |s| == 203 && ShowReadMore(s);
    assert s[..DefaultMaxLength] == a;
    assert TruncateAbstract(s) == a + Ellipsis;
  }

  /** The author byline: the first two names, then "+N more" for the rest. */
  function Byline(authors: seq<string>): (r: string)
    ensures |authors| <= 2 ==> r == Join(authors, ", ")
    ensures |authors| > 2 ==> StartsWith(r, Join(authors[..2], ", "))
    ensures |authors| > 2 ==> var more := " +" + NatToString(|authors| - 2) + " more";
              |more| <= |r| && r[|r| - |more|..] == more
    ensures |authors| > 2 ==> |r| == |Join(authors[..2], ", ")| + |" +" + NatToString(|authors| - 2) + " more"|
  {
    if |authors| <= 2 then Join(authors, ", ")
    else Join(authors[..2], ", ") + " +" + NatToString(|authors| - 2) + " more"
  }

  lemma BylineOfTwo(a: string, b: string)
    ensures Byline([a, b]) == a + ", " + b
  {
    assert [a, b][1..] == [b];
    assert Join([b], ", ") == b;
  }

  predicate IsDigit(c: char)
  {
    '0' <= c <= '9'
  }

  predicate AllDigits(s: string)
  {
    forall i :: 0 <= i < |s| ==> IsDigit(s[i])
  }

  /**
   * The length of a match of `\d{4}\.\d{4,5}` starting at `i`, if any: ten when a
   * fifth digit follows (the quantifier is greedy), else nine.
   */
  function MatchLength(s: string, i: nat): (r: Option<nat>)
    ensures r.Some? ==> i + r.value <= |s| && (r.value == 9 || r.value == 10)
    ensures r.Some? <==> i + 9 <= |s| && AllDigits(s[i..i + 4]) && s[i + 4] == '.' && AllDigits(s[i + 5..i + 9])
  {
    if i + 9 <= |s| && AllDigits(s[i..i + 4]) && s[i + 4] == '.' && AllDigits(s[i + 5..i + 9]) then
      Some(if i + 9 < |s| && IsDigit(s[i + 9]) then 10 else 9)
    else None
  }

  /** The leftmost match at or after `from`, as JavaScript's `String.prototype.match` finds it. */
  function FirstMatch(s: string, from: nat): (r: Option<string>)
    ensures r.None? <==> forall i :: from <= i <= |s| ==> MatchLength(s, i).None?
    ensures r.Some? ==>
              exists i :: from <= i <= |s| && MatchLength(s, i).Some? &&
                (forall j :: from <= j < i ==> MatchLength(s, j).None?) &&
                r.value == s[i..i + MatchLength(s, i).value]
    decreases |s| - from
  {
    if from > |s| then None
    else if MatchLength(s, from).Some? then Some(s[from..from + MatchLength(s, from).value])
    else FirstMatch(s, from + 1)
  }

  /**
   * `getArxivId`: "Paper" without an arXiv source URL, "arxiv:" and the first
   * identifier-shaped substring when there is one, "arXiv" otherwise.
   */
  function ArxivBadge(sourceUrl: Option<string>): (r: string)
    ensures sourceUrl.None? || !Contains(sourceUrl.value, "arxiv.org") <==> r == "Paper"
    ensures sourceUrl.Some? && Contains(sourceUrl.value, "arxiv.org") && FirstMatch(sourceUrl.value, 0).None? <==> r == "arXiv"
    ensures sourceUrl.Some? && FirstMatch(sourceUrl.value, 0).Some? && Contains(sourceUrl.value, "arxiv.org") ==>
              r == "arxiv:" + FirstMatch(sourceUrl.value, 0).value
  {
    if sourceUrl.Some? && Contains(sourceUrl.value, "arxiv.org") then
      match FirstMatch(sourceUrl.value, 0)
      case Some(m) => "arxiv:" + m
      case None => "arXiv"
    else "Paper"
  }

  /**
   * An arXiv abstract URL shows its identifier, whether the identifier has four or
   * five digits after the dot.
   */
  lemma ArxivBadgeOfAbsUrl(id: string)
    requires |id| == 9 || |id| == 10
    requires AllDigits(id[..4]) && id[4] == '.' && AllDigits(id[5..])
    ensures ArxivBadge(Some("https://" + "arxiv.org" + "/abs/" + id)) == "arxiv:" + id
  {
    var host, path := "https://", "arxiv.org";
    var prefix := host + path + "/abs/";
    var s := prefix + id;
    assert s == host + path + ("/abs/" + id);
    assert s[|host|..|host| + |path|] == path;
    assert OccursAt(s, path, |host|);
    assert |prefix| == 22;
    forall j | 0 <= j < 22
      ensures MatchLength(s, j).None?
    {
      assert s[j] == prefix[j];
      assert !IsDigit(prefix[j]);
      assert s[j..j + 4][0] == s[j];
    }
    assert s[22..] == id;
    assert MatchLength(s, 22) == Some(|id|);
    FirstMatchSkips(s, 0, 22);
  }

  lemma {:induction false} FirstMatchSkips(s: string, from: nat, i: nat)
    requires from <= i <= |s| && MatchLength(s, i).Some?
    requires forall j :: from <= j < i ==> MatchLength(s, j).None?
    ensures FirstMatch(s, from) == Some(s[i..i + MatchLength(s, i).value])
    decreases i - from
  {
    if from < i {
      FirstMatchSkips(s, from + 1, i);
    }
  }

  /** The like button asks for "dislike" on a liked paper and "like" otherwise. */
  function LikeAction(p: Paper): (a: Action)
    ensures a == Dislike <==> IsLiked(p)
    ensures a != Delete
  {
    if IsLiked(p) then Dislike else Like
  }
}
