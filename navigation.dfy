/** Active-link highlighting in the navigation bar, run on every scroll. */
module Navigation {

  /** A section is "reached" once the page has scrolled to within this many
      pixels above its top. */
  const ActivationMargin := 200

  /** A `section[id]` element: its id and its `offsetTop`. */
  datatype Section = Section(id: string, offsetTop: int)

  predicate Reached(s: Section, scrollY: int)
  {
    scrollY >= s.offsetTop - ActivationMargin
  }

  /** The id of the last reached section in document order, or "" if none. */
  function LastReached(sections: seq<Section>, scrollY: int): (current: string)
    ensures current != "" ==>
              exists k :: 0 <= k < |sections| && Reached(sections[k], scrollY) && current == sections[k].id
  {
    if sections == [] then ""
    else
      var last := sections[|sections| - 1];
      if Reached(last, scrollY) then last.id else LastReached(sections[..|sections| - 1], scrollY)
  }

  /** `LastReached` picks a reached section after which none is reached, and
      gives "" exactly when no section is reached. */
  lemma {:induction false} LastReachedIsLast(sections: seq<Section>, scrollY: int)
    ensures (forall k :: 0 <= k < |sections| ==> !Reached(sections[k], scrollY)) ==>
              LastReached(sections, scrollY) == ""
    ensures (exists k :: 0 <= k < |sections| && Reached(sections[k], scrollY)) ==>
              exists k :: 0 <= k < |sections| && Reached(sections[k], scrollY) &&
                LastReached(sections, scrollY) == sections[k].id &&
                forall j :: k < j < |sections| ==> !Reached(sections[j], scrollY)
  {
    if sections != [] {
      var n := |sections| - 1;
      var prefix := sections[..n];
      LastReachedIsLast(prefix, scrollY);
      assert forall k :: 0 <= k < n ==> prefix[k] == sections[k];
      if !Reached(sections[n], scrollY) && exists k :: 0 <= k < |sections| && Reached(sections[k], scrollY) {
        var k :| 0 <= k < |sections| && Reached(sections[k], scrollY);
        assert Reached(prefix[k], scrollY);
      }
    }
  }

  /** The scroll handler's first loop: scans the sections in document order,
      remembering the id of each reached one. */
  method CurrentSection(sections: seq<Section>, scrollY: int) returns (current: string)
    ensures current == LastReached(sections, scrollY)
  {
    current := "";
    for i := 0 to |sections|
      invariant current == LastReached(sections[..i], scrollY)
    {
      assert sections[..i + 1][..i] == sections[..i];
      if scrollY >= sections[i].offsetTop - ActivationMargin {
        current := sections[i].id;
      }
    }
    assert sections[..|sections|] == sections;
  }

  /** The navigation bar: its links' `href`s and `active` classes. A link
      without `href` has href "" (never equal to a "#..." target). The
      sections' ids and offsets are read afresh on every scroll, so they are
      a parameter of `OnScroll`. */
  class NavBar {
    const hrefs: seq<string>
    const linkActive: array<bool>

    ghost predicate Valid()
      reads this
    {
      linkActive.Length == |hrefs|
    }

    constructor (hrefs: seq<string>, markupActive: seq<bool>)
      requires |markupActive| == |hrefs|
      ensures this.hrefs == hrefs
      ensures fresh(linkActive) && linkActive[..] == markupActive
      ensures Valid()
    {
      this.hrefs := hrefs;
      linkActive := new bool[|markupActive|](j requires 0 <= j < |markupActive| => markupActive[j]);
    }

    /** A scroll event at `scrollY`, with the sections as laid out at that
        moment: exactly the links pointing at the last reached section
        become active. */
    method OnScroll(scrollY: int, sections: seq<Section>) returns (current: string)
      requires Valid()
      modifies linkActive
      ensures current == LastReached(sections, scrollY)
      ensures forall j :: 0 <= j < linkActive.Length ==> linkActive[j] == (hrefs[j] == "#" + current)
    {
      current := CurrentSection(sections, scrollY);
      for j := 0 to linkActive.Length
        invariant forall k :: 0 <= k < j ==> linkActive[k] == (hrefs[k] == "#" + current)
      {
        linkActive[j] := false;
        if hrefs[j] == "#" + current {
          linkActive[j] := true;
        }
      }
    }
  }
}
