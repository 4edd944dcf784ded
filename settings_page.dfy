/** The research-interest list of frontend/components/settings-page.tsx. */
module SettingsPage {
  import opened Text
  import opened Lists

  /** The list after `addInterest`: the trimmed input appended when non-empty and new. */
  function AddedInterests(interests: seq<string>, input: string): (r: seq<string>)
    ensures var t := JsTrim(input);
            (t != "" && t !in interests ==> r == interests + [t]) &&
            (t == "" || t in interests ==> r == interests)
  {
    var t := JsTrim(input);
    if t != "" && t !in interests then interests + [t] else interests
  }

  /** `addInterest` never introduces a duplicate. */
  lemma AddKeepsDistinct(interests: seq<string>, input: string)
    requires Distinct(interests)
    ensures Distinct(AddedInterests(interests, input))
  {
  }

  /** Adding a new interest and removing it again restores the list. */
  lemma AddThenRemove(interests: seq<string>, input: string)
    requires JsTrim(input) != "" && JsTrim(input) !in interests
    ensures Without(AddedInterests(interests, input), JsTrim(input)) == interests
  {
    WithoutAppended(interests, JsTrim(input));
  }

  /** The settings page state: the interest list and the text of the input box. */
  class InterestEditor {
    var interests: seq<string>
    var newInterest: string

    constructor(interests: seq<string>)
      ensures this.interests == interests && newInterest == ""
    {
      this.interests := interests;
      newInterest := "";
    }

    /** Typing into the input box. */
    method SetNewInterest(text: string)
      modifies this
      ensures newInterest == text && interests == old(interests)
    {
      newInterest := text;
    }

    /**
     * `addInterest`: appends the trimmed input and clears the box when the input is
     * non-empty and not yet listed; otherwise nothing changes.
     */
    method AddInterest()
      modifies this
      ensures interests == AddedInterests(old(interests), old(newInterest))
      ensures interests != old(interests) ==> newInterest == ""
      ensures interests == old(interests) ==> newInterest == old(newInterest)
    {
      var t := JsTrim(newInterest);
      if t != "" && t !in interests {
        interests := interests + [t];
        newInterest := "";
      }
    }

    /** `removeInterest`: drops every equal entry and keeps the order of the rest. */
    method RemoveInterest(interest: string)
      modifies this
      ensures interests == Without(old(interests), interest)
      ensures newInterest == old(newInterest)
    {
      interests := Without(interests, interest);
    }
  }
}
